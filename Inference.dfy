/** The loaded artifacts and the numeric steps around the fitted model. */
module Inference {
  import opened Wrappers
  import opened Text

  /** Exceptions the pipeline can raise outside its own validation. */
  datatype Fault =
    | NoGetOnBody       // `data.get` on a JSON body that is not an object (AttributeError)
    | NotConvertible    // `float(val)` on an array or object value (TypeError)
    | ScalerFailed      // `scaler.transform` raised
    | ModelFailed       // `model.predict_proba` raised
    | EmptyArgMax       // `np.argmax` of an empty probability row (ValueError)
    | ClassIndex        // an index past the end of the class names (IndexError)
    | LabelsNoValues    // `.values()` on a labels artifact that is neither list nor dict

  /** The labels artifact: a list, a dict (kept as its values in insertion order), or anything else. */
  datatype Labels = LabelList(names: seq<string>) | LabelDict(values: seq<string>) | LabelOther

  /** The four artifacts, once loaded. `modelClasses` is `model.classes_` (as `str` values) when the
      model has that attribute; `transform` and `predictProba` stand for the fitted scaler and model,
      returning `None` where they raise. */
  datatype Artifacts = Artifacts(
    modelClasses: Option<seq<string>>,
    transform: seq<real> -> Option<seq<real>>,
    predictProba: seq<real> -> Option<seq<real>>,
    featureNames: seq<string>,
    labels: Labels)

  /** `scaler.transform` then `model.predict_proba(...)[0]`. */
  function Scores(a: Artifacts, input: seq<real>): (r: Result<seq<real>, Fault>)
    ensures r.Failure? ==> r.error == ScalerFailed || r.error == ModelFailed
    ensures r.Success? ==> a.transform(input).Some? && a.predictProba(a.transform(input).value) == Some(r.value)
  {
    match a.transform(input)
    case None => Failure(ScalerFailed)
    case Some(scaled) =>
      match a.predictProba(scaled)
      case None => Failure(ModelFailed)
      case Some(p) => Success(p)
  }

  /** `np.argmax`: the first index of the largest entry. */
  function ArgMax(p: seq<real>): (k: nat)
    requires |p| > 0
    ensures k < |p|
    ensures forall j :: 0 <= j < |p| ==> p[j] <= p[k]
    ensures forall j :: 0 <= j < k ==> p[j] < p[k]
  {
    if |p| == 1 then 0
    else
      var k := ArgMax(p[..|p| - 1]);
      if p[|p| - 1] > p[k] then |p| - 1 else k
  }

  /** The first maximum is the only index with both properties `ArgMax` promises. */
  lemma ArgMaxUnique(p: seq<real>, k: nat)
    requires k < |p|
    requires forall j :: 0 <= j < |p| ==> p[j] <= p[k]
    requires forall j :: 0 <= j < k ==> p[j] < p[k]
    ensures k == ArgMax(p)
  {
  }

  /** `[str(c).lower().strip() for c in names]`. */
  function NormalizeAll(names: seq<string>): (r: seq<string>)
    ensures |r| == |names|
    ensures forall i :: 0 <= i < |names| ==> r[i] == Normalize(names[i])
  {
    seq(|names|, i requires 0 <= i < |names| => Normalize(names[i]))
  }
}
