/**
  The offline verification script (predict.py): its own copy of the category
  table, the lenient encoding loop over the fixed sample record, the
  three-step class-label fallback, and the report whose one predicted row
  carries the marker.
*/
module Script {
  import opened Wrappers
  import opened Text
  import opened Records
  import opened Categories
  import opened Inference
  import Api

  /** The script's copy of the category table. */
  const Mapping: map<string, int> := map[
    "male" := 1, "female" := 0,
    "typical angina" := 1, "atypical angina" := 2, "non-anginal" := 3, "asymptomatic" := 4,
    "true" := 1, "false" := 0, "yes" := 1, "no" := 0,
    "normal" := 0, "st-t wave" := 1, "hypertrophy" := 2,
    "upsloping" := 1, "flat" := 2, "downsloping" := 3,
    "fixed defect" := 3, "normal defect" := 6, "reversable defect" := 7
  ]

  /** The copy is the service's table, so every string is coded alike by both entry points. */
  lemma MappingMatchesApi()
    ensures Mapping == Api.Mapping
  {
  }

  /** One iteration of the lenient loop. `None` only where `float(val)` raises on an array or
      object value, which ends the script. */
  function Convert(name: string, v: Option<Value>, parse: string -> Option<real>): (r: Option<real>)
    ensures r.None? <==> v == Some(Composite)
    ensures Api.Convert(name, v, parse).Success? ==> r == Some(Api.Convert(name, v, parse).value)
    ensures Api.Convert(name, v, parse).Failure? && !Api.Convert(name, v, parse).error.Raised? ==> r == Some(0.0)
  {
    MappingMatchesApi();
    match v
    case None => Some(0.0)
    case Some(Null) => Some(0.0)
    case Some(Str(s)) =>
      (match Lookup(Mapping, s)
       case Some(code) => Some(code)
       case None =>
         (match parse(s)
          case Some(x) => Some(x)
          case None => Some(0.0)))
    case Some(Num(x)) => Some(x)
    case Some(Bool(b)) => Some(if b then 1.0 else 0.0)
    case Some(Composite) => None
  }

  /** The lenient encoding: one value per schema name, `0.0` for what is missing or unreadable. */
  function Encode(schema: seq<string>, record: map<string, Value>, parse: string -> Option<real>): (r: Option<seq<real>>)
    ensures r.Some? ==> |r.value| == |schema|
    decreases |schema|
  {
    if schema == [] then Some([])
    else
      match Convert(schema[0], Get(record, schema[0]), parse)
      case None => None
      case Some(x) =>
        match Encode(schema[1..], record, parse)
        case None => None
        case Some(rest) => Some([x] + rest)
  }

  /** The lenient encoding succeeds unless some schema name holds an array or object, and then
      entry `i` is the lenient conversion of `record[schema[i]]`. */
  lemma {:induction false} EncodeShape(schema: seq<string>, record: map<string, Value>, parse: string -> Option<real>)
    ensures Encode(schema, record, parse).Some? <==>
              forall i :: 0 <= i < |schema| ==> Get(record, schema[i]) != Some(Composite)
    ensures Encode(schema, record, parse).Some? ==>
              forall i :: 0 <= i < |schema| ==>
                Convert(schema[i], Get(record, schema[i]), parse) == Some(Encode(schema, record, parse).value[i])
    decreases |schema|
  {
    if schema != [] {
      EncodeShape(schema[1..], record, parse);
      assert forall i :: 1 <= i < |schema| ==> schema[1..][i - 1] == schema[i];
      if Get(record, schema[0]) == Some(Composite) {
        assert !(forall i :: 0 <= i < |schema| ==> Get(record, schema[i]) != Some(Composite));
      } else if Encode(schema[1..], record, parse).None? {
        var i :| 0 <= i < |schema[1..]| && Get(record, schema[1..][i]) == Some(Composite);
        assert Get(record, schema[i + 1]) == Some(Composite);
      }
    }
  }

  /** Whenever the service's strict encoder accepts a record, the script's lenient loop yields
      the very same vector. */
  lemma {:induction false} StrictSuccessAgrees(schema: seq<string>, record: map<string, Value>, parse: string -> Option<real>)
    requires Api.Encode(schema, record, parse).Success?
    ensures Encode(schema, record, parse) == Some(Api.Encode(schema, record, parse).value)
    decreases |schema|
  {
    if schema != [] {
      StrictSuccessAgrees(schema[1..], record, parse);
    }
  }

  /** The script's loop: a missing feature appends `0.0` and continues; otherwise the value is
      converted and appended. */
  method EncodeFeatures(schema: seq<string>, record: map<string, Value>, parse: string -> Option<real>)
    returns (r: Option<seq<real>>)
    ensures r == Encode(schema, record, parse)
  {
    EncodeShape(schema, record, parse);
    var inputValues: seq<real> := [];
    for i := 0 to |schema|
      invariant |inputValues| == i
      invariant forall j :: 0 <= j < i ==> Convert(schema[j], Get(record, schema[j]), parse) == Some(inputValues[j])
    {
      var f := schema[i];
      var val := Get(record, f);
      if val == None || val == Some(Null) {
        inputValues := inputValues + [0.0];
        continue;
      }
      var converted: real;
      match val.value {
        case Str(s) =>
          var lowVal := Normalize(s);
          if lowVal in Mapping {
            converted := Mapping[lowVal] as real;
          } else {
            var parsed := parse(s);
            converted := if parsed.Some? then parsed.value else 0.0;
          }
        case Num(x) =>
          converted := x;
        case Bool(b) =>
          converted := if b then 1.0 else 0.0;
        case Composite =>
          return None;
      }
      inputValues := inputValues + [converted];
    }
    assert Encode(schema, record, parse).value == inputValues;
    return Some(inputValues);
  }

  /** `actual_classes`: the model's `classes_`, else the labels artifact when it is a list, else the
      values of the labels dict; `None` where the artifact has no `.values()`. */
  function ResolveClasses(a: Artifacts): (r: Option<seq<string>>)
    ensures r.None? <==> a.modelClasses.None? && a.labels.LabelOther?
    ensures a.modelClasses.Some? || a.labels.LabelList? ==> r == Some(Api.ActualClasses(a))
    ensures a.modelClasses.None? && a.labels.LabelDict? ==> r == Some(NormalizeAll(a.labels.values))
  {
    match a.modelClasses
    case Some(classes) => Some(NormalizeAll(classes))
    case None =>
      match a.labels
      case LabelList(names) => Some(NormalizeAll(names))
      case LabelDict(values) => Some(NormalizeAll(values))
      case LabelOther => None
  }

  /** One printed line of the report. */
  datatype Row = Row(className: string, percent: real, predicted: bool)

  /** The number of rows carrying the "[PREDICTED]" marker. */
  function MarkedCount(rows: seq<Row>): nat {
    if rows == [] then 0 else (if rows[0].predicted then 1 else 0) + MarkedCount(rows[1..])
  }

  /** Rows marked exactly at `idx` contain exactly one marked row. */
  lemma {:induction false} MarkedOnlyAt(rows: seq<Row>, idx: nat)
    requires idx < |rows|
    requires forall i :: 0 <= i < |rows| ==> (rows[i].predicted <==> i == idx)
    ensures MarkedCount(rows) == 1
  {
    if idx == 0 {
      NoneMarked(rows[1..]);
    } else {
      MarkedOnlyAt(rows[1..], idx - 1);
    }
  }

  lemma {:induction false} NoneMarked(rows: seq<Row>)
    requires forall i :: 0 <= i < |rows| ==> !rows[i].predicted
    ensures MarkedCount(rows) == 0
  {
    if rows != [] {
      NoneMarked(rows[1..]);
    }
  }

  /** The printing loop: one row per probability, labelled by the class at the same index and
      marked exactly at `idx`. */
  method MarkRows(classes: seq<string>, p: seq<real>, idx: nat) returns (rows: seq<Row>)
    requires |p| <= |classes|
    ensures |rows| == |p|
    ensures forall i :: 0 <= i < |p| ==> rows[i] == Row(classes[i], 100.0 * p[i], i == idx)
    ensures idx < |p| ==> MarkedCount(rows) == 1
  {
    rows := [];
    for i := 0 to |p|
      invariant |rows| == i
      invariant forall j :: 0 <= j < i ==> rows[j] == Row(classes[j], 100.0 * p[j], j == idx)
    {
      rows := rows + [Row(classes[i], 100.0 * p[i], i == idx)];
    }
    if idx < |p| {
      MarkedOnlyAt(rows, idx);
    }
  }

  /** How a run ends: artifacts missing (`exit()`), an exception, or the printed report. */
  datatype RunOutcome =
    | Exited
    | Crashed(fault: Fault)
    | Report(rows: seq<Row>, finalResult: string, confidence: real)

  /** The hard-coded sample profile. */
  const SampleRecord: map<string, Value> := map[
    "age" := Num(63.0), "sex" := Str("male"), "cp" := Str("typical angina"),
    "trestbps" := Num(145.0), "chol" := Num(233.0), "fbs" := Str("true"),
    "restecg" := Str("hypertrophy"), "thalach" := Num(150.0), "exang" := Str("no"),
    "oldpeak" := Num(2.3), "slope" := Str("downsloping"), "ca" := Num(0.0),
    "thal" := Str("fixed defect")
  ]

  /** The sample's keys in the order the script writes them. */
  const SampleKeys: seq<string> :=
    ["age", "sex", "cp", "trestbps", "chol", "fbs", "restecg", "thalach", "exang", "oldpeak", "slope", "ca", "thal"]

  /** No value of the sample is an array or object. */
  lemma SampleHasNoComposite()
    ensures forall name :: name in SampleRecord ==> SampleRecord[name] != Composite
  {
  }

  /** The lenient loop never aborts on the sample, whatever the schema. */
  lemma SampleAlwaysEncodes(schema: seq<string>, parse: string -> Option<real>)
    ensures Encode(schema, SampleRecord, parse).Some?
  {
    SampleHasNoComposite();
    EncodeShape(schema, SampleRecord, parse);
  }

  /** The vector the lenient loop builds from the sample for `schema`. */
  function SampleInput(schema: seq<string>, parse: string -> Option<real>): (x: seq<real>)
    ensures Encode(schema, SampleRecord, parse) == Some(x)
    ensures |x| == |schema|
  {
    SampleAlwaysEncodes(schema, parse);
    Encode(schema, SampleRecord, parse).value
  }

  /** The script run. Artifacts are `None` when loading failed. */
  method Run(artifacts: Option<Artifacts>, parse: string -> Option<real>) returns (out: RunOutcome)
    ensures artifacts.None? <==> out.Exited?
    ensures out.Report? ==>
              var a := artifacts.value;
              var scores := Scores(a, SampleInput(a.featureNames, parse));
              var classes := ResolveClasses(a);
              scores.Success? && classes.Some? && 0 < |scores.value| <= |classes.value| &&
              var k := ArgMax(scores.value);
              |out.rows| == |scores.value| && MarkedCount(out.rows) == 1 && out.rows[k].predicted &&
              (forall i :: 0 <= i < |out.rows| ==>
                 out.rows[i] == Row(classes.value[i], 100.0 * scores.value[i], i == k)) &&
              out.finalResult == ToUpper(classes.value[k]) && out.confidence == 100.0 * scores.value[k]
    ensures artifacts.Some? && !out.Report? ==>
              var a := artifacts.value;
              var scores := Scores(a, SampleInput(a.featureNames, parse));
              var classes := ResolveClasses(a);
              scores.Failure? || |scores.value| == 0 || classes.None? || |scores.value| > |classes.value|
  {
    if artifacts.None? {
      return Exited;
    }
    var a := artifacts.value;
    SampleAlwaysEncodes(a.featureNames, parse);
    var encoded := EncodeFeatures(a.featureNames, SampleRecord, parse);
    var inputValues := encoded.value;
    var scores := Scores(a, inputValues);
    if scores.Failure? {
      return Crashed(scores.error);
    }
    var probabilities := scores.value;
    if |probabilities| == 0 {
      return Crashed(EmptyArgMax);
    }
    var predictedIdx := ArgMax(probabilities);
    var actualClasses := ResolveClasses(a);
    if actualClasses.None? {
      return Crashed(LabelsNoValues);
    }
    if |probabilities| > |actualClasses.value| {
      return Crashed(ClassIndex);
    }
    var rows := MarkRows(actualClasses.value, probabilities, predictedIdx);
    return Report(rows, ToUpper(actualClasses.value[predictedIdx]), 100.0 * probabilities[predictedIdx]);
  }

  /** The sample's expected encoding in `SampleKeys` order. */
  const SampleVector: seq<real> := [63.0, 1.0, 1.0, 145.0, 233.0, 1.0, 2.0, 150.0, 0.0, 2.3, 3.0, 0.0, 3.0]

  /** Feature `i` of the sample, a category label, converts to entry `i` of `SampleVector`. */
  lemma SampleMapped(parse: string -> Option<real>, i: nat, key: string)
    requires i < |SampleKeys| && SampleKeys[i] in SampleRecord && SampleRecord[SampleKeys[i]] == Str(key)
    requires Normalize(key) == key && key in Api.Mapping && SampleVector[i] == Api.Mapping[key] as real
    ensures Api.Convert(SampleKeys[i], Get(SampleRecord, SampleKeys[i]), parse) == Success(SampleVector[i])
  {
    Api.ConvertMapped(SampleKeys[i], key, key, parse);
  }

  /** The sample's numeric features pass through unchanged. */
  lemma SampleNumeric(parse: string -> Option<real>, i: nat)
    requires i in {0, 3, 4, 7, 9, 11}
    ensures i < |SampleKeys|
    ensures Api.Convert(SampleKeys[i], Get(SampleRecord, SampleKeys[i]), parse) == Success(SampleVector[i])
  {
  }

  /** The sample's "male" converts to entry 1 of `SampleVector`. */
  lemma SampleSex(parse: string -> Option<real>)
    ensures Api.Convert(SampleKeys[1], Get(SampleRecord, SampleKeys[1]), parse) == Success(SampleVector[1])
  {
    Api.NormalMale();
    SampleMapped(parse, 1, "male");
  }

  /** The sample's "typical angina" converts to entry 2 of `SampleVector`. */
  lemma SampleChestPain(parse: string -> Option<real>)
    ensures Api.Convert(SampleKeys[2], Get(SampleRecord, SampleKeys[2]), parse) == Success(SampleVector[2])
  {
    Api.NormalTypicalAngina();
    SampleMapped(parse, 2, "typical angina");
  }

  /** The sample's "true" converts to entry 5 of `SampleVector`. */
  lemma SampleFastingSugar(parse: string -> Option<real>)
    ensures Api.Convert(SampleKeys[5], Get(SampleRecord, SampleKeys[5]), parse) == Success(SampleVector[5])
  {
    Api.NormalTrue();
    SampleMapped(parse, 5, "true");
  }

  /** The sample's "hypertrophy" converts to entry 6 of `SampleVector`. */
  lemma SampleRestEcg(parse: string -> Option<real>)
    ensures Api.Convert(SampleKeys[6], Get(SampleRecord, SampleKeys[6]), parse) == Success(SampleVector[6])
  {
    Api.NormalHypertrophy();
    SampleMapped(parse, 6, "hypertrophy");
  }

  /** The sample's "no" converts to entry 8 of `SampleVector`. */
  lemma SampleExerciseAngina(parse: string -> Option<real>)
    ensures Api.Convert(SampleKeys[8], Get(SampleRecord, SampleKeys[8]), parse) == Success(SampleVector[8])
  {
    Api.NormalNo();
    SampleMapped(parse, 8, "no");
  }

  /** The sample's "downsloping" converts to entry 10 of `SampleVector`. */
  lemma SampleSlope(parse: string -> Option<real>)
    ensures Api.Convert(SampleKeys[10], Get(SampleRecord, SampleKeys[10]), parse) == Success(SampleVector[10])
  {
    Api.NormalDownsloping();
    SampleMapped(parse, 10, "downsloping");
  }

  /** The sample's "fixed defect" converts to entry 12 of `SampleVector`. */
  lemma SampleThal(parse: string -> Option<real>)
    ensures Api.Convert(SampleKeys[12], Get(SampleRecord, SampleKeys[12]), parse) == Success(SampleVector[12])
  {
    Api.NormalFixedDefect();
    SampleMapped(parse, 12, "fixed defect");
  }

  /** Feature `i` of the sample converts to entry `i` of `SampleVector`. */
  lemma SampleFeature(parse: string -> Option<real>, i: nat)
    requires i < |SampleKeys|
    ensures Api.Convert(SampleKeys[i], Get(SampleRecord, SampleKeys[i]), parse) == Success(SampleVector[i])
  {
    if i == 1 {
      SampleSex(parse);
    } else if i == 2 {
      SampleChestPain(parse);
    } else if i == 5 {
      SampleFastingSugar(parse);
    } else if i == 6 {
      SampleRestEcg(parse);
    } else if i == 8 {
      SampleExerciseAngina(parse);
    } else if i == 10 {
      SampleSlope(parse);
    } else if i == 12 {
      SampleThal(parse);
    } else {
      SampleNumeric(parse, i);
    }
  }

  /** With the schema in the sample's own key order, the sample encodes to `SampleVector`; the
      service's strict encoder accepts it and agrees. */
  lemma SampleEncoding(parse: string -> Option<real>)
    ensures Api.Encode(SampleKeys, SampleRecord, parse) == Success(SampleVector)
    ensures Encode(SampleKeys, SampleRecord, parse) == Some(SampleVector)
  {
    forall i | 0 <= i < |SampleKeys|
      ensures Api.Convert(SampleKeys[i], Get(SampleRecord, SampleKeys[i]), parse) == Success(SampleVector[i])
    {
      SampleFeature(parse, i);
    }
    Api.EncodesTo(SampleKeys, SampleRecord, parse, SampleVector);
    StrictSuccessAgrees(SampleKeys, SampleRecord, parse);
  }
}
