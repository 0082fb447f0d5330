/**
 * The model adapter of the sentiment service (AclImdbSentimentAnalysisModel in
 * acl_imdb/app/service.py). Training fits a pipeline and saves it in the
 * artifact store under a file named after the new version; deploying loads the
 * file a version names into the serving slot; predicting applies the deployed
 * pipeline to one text.
 *
 * The file system is an abstract map from path to saved pipeline, the clock is
 * the version name passed to training, and the numeric part of the pipeline
 * (bag-of-words vectorizer and logistic regression) is opaque: whether fitting
 * raises and which label a fitted classifier gives are parameters.
 */
module Service {
  import opened Wrappers
  import Preprocess

  // ------------------------------------------------------------------ artifact paths

  const PathModels: string := "/app/models"
  const ArtifactPrefix: string := "/model_acl_imdb_lr_"
  const ArtifactSuffix: string := ".joblib"

  /**
   * Where the pipeline of a version is saved (by _train) and loaded (by
   * _deploy): a .joblib file in the models directory whose name carries the
   * version between the fixed prefix and the suffix.
   */
  function ModelPath(version: string): (p: string)
    ensures |p| == |PathModels| + |ArtifactPrefix| + |version| + |ArtifactSuffix|
    ensures p[..|PathModels| + 1] == PathModels + "/"
    ensures p[|PathModels| + |ArtifactPrefix|..|p| - |ArtifactSuffix|] == version
    ensures p[|p| - |ArtifactSuffix|..] == ArtifactSuffix
  {
    var head := PathModels + ArtifactPrefix;
    PathParts(head, version, ArtifactSuffix);
    assert head[..|PathModels| + 1] == PathModels + "/";
    head + version + ArtifactSuffix
  }

  /** The version an artifact path names, if the path has the shape ModelPath gives. */
  function VersionOfPath(path: string): (v: Option<string>)
    ensures v.Some? ==> ModelPath(v.value) == path
  {
    var head := PathModels + ArtifactPrefix;
    if |path| >= |head| + |ArtifactSuffix|
       && path[..|head|] == head
       && path[|path| - |ArtifactSuffix|..] == ArtifactSuffix
    then
      var v := path[|head|..|path| - |ArtifactSuffix|];
      assert path == head + v + ArtifactSuffix by {
        assert path == path[..|head|] + path[|head|..|path| - |ArtifactSuffix|] + path[|path| - |ArtifactSuffix|..];
      }
      Some(v)
    else None
  }

  lemma PathParts(head: string, v: string, tail: string)
    ensures (head + v + tail)[..|head|] == head
    ensures (head + v + tail)[|head + v + tail| - |tail|..] == tail
    ensures (head + v + tail)[|head|..|head + v + tail| - |tail|] == v
  {
  }

  /** Every version name can be read back from its artifact path. */
  lemma VersionOfModelPath(version: string)
    ensures VersionOfPath(ModelPath(version)) == Some(version)
  {
    PathParts(PathModels + ArtifactPrefix, version, ArtifactSuffix);
  }

  /** Distinct versions are saved in distinct files. */
  lemma ModelPathInjective(v1: string, v2: string)
    ensures ModelPath(v1) == ModelPath(v2) ==> v1 == v2
  {
    VersionOfModelPath(v1);
    VersionOfModelPath(v2);
  }

  // ------------------------------------------------------------------ records

  type Scores = map<string, real>

  /** ModelVersion: a version name and, optionally, evaluation scores. */
  datatype ModelVersion = ModelVersion(version: string, scores: Option<Scores>)

  /** TextInput: the single field a prediction request carries. */
  datatype TextInput = TextInput(text: string)

  /** A JSON object of string fields, as a training example's input arrives. */
  type Fields = map<string, string>

  function AsFields(input: TextInput): (f: Fields)
    ensures "text" in f && f["text"] == input.text
  {
    map["text" := input.text]
  }

  /** ClassificationOutput: a label together with the input it was given for. */
  datatype ClassificationOutput = ClassificationOutput(prediction: string, input: Fields)

  /** The exceptions the adapter's operations can end in. */
  datatype ServiceError =
    | KeyError(key: string)        // an example without a 'text' field
    | FileNotFound(path: string)   // loading a version that was never saved
    | NotDeployed                  // predicting before any deploy (self.model unset)
    | NotFitted                    // predicting with a pipeline whose fit raised

  // ------------------------------------------------------------------ the pipeline

  datatype Estimator = Preprocessor(verbose: bool) | Vectorizer | Classifier(maxIter: nat)

  /** What the steps after preprocessing were fitted on: cleaned texts and their labels. */
  datatype FitState = Unfitted | Fitted(texts: seq<string>, labels: seq<string>)

  datatype Pipeline = Pipeline(steps: seq<(string, Estimator)>, state: FitState)

  /** The pipeline _train builds: preprocessing, vectorizer, classifier (max_iter 1000). */
  const Untrained: Pipeline :=
    Pipeline([("preprocess", Preprocessor(false)), ("vectorizer", Vectorizer), ("classifier", Classifier(1000))],
             Unfitted)

  /**
   * Pipeline.fit(X, y): the preprocessing step's transform feeds the cleaned
   * texts to the later steps. If fitting raises, the pipeline stays unfitted.
   */
  function FitPipeline(p: Pipeline, texts: seq<string>, labels: seq<string>, raised: bool): (q: Pipeline)
    ensures q.steps == p.steps
    ensures raised ==> q == p
    ensures !raised ==>
      && q.state.Fitted? && q.state.labels == labels && |q.state.texts| == |texts|
      && forall i :: 0 <= i < |texts| ==> q.state.texts[i] == Preprocess.CleanLine(texts[i])
  {
    if raised then p else p.(state := Fitted(Preprocess.Transform(texts), labels))
  }

  /** A fitted vectorizer and classifier: from what they were fitted on and a cleaned text, a label. */
  type LabelOf = (seq<string>, seq<string>, string) -> string

  /**
   * Pipeline.predict(X): each text goes through the preprocessing transform and
   * then the fitted classifier; an unfitted pipeline raises.
   */
  function PredictPipeline(p: Pipeline, texts: seq<string>, classify: LabelOf): (r: Result<seq<string>, ServiceError>)
    ensures r.Failure? <==> p.state.Unfitted?
    ensures r.Failure? ==> r.error == NotFitted
    ensures r.Success? ==>
      && |r.value| == |texts|
      && forall i :: 0 <= i < |texts| ==>
           r.value[i] == classify(p.state.texts, p.state.labels, Preprocess.CleanLine(texts[i]))
  {
    match p.state
    case Unfitted => Failure(NotFitted)
    case Fitted(x, y) =>
      var cleaned := Preprocess.Transform(texts);
      Success(seq(|cleaned|, i requires 0 <= i < |cleaned| => classify(x, y, cleaned[i])))
  }

  /**
   * The pipeline _train builds has the three named steps in order, and until a
   * fit succeeds every prediction with it raises: after a fit on any texts and
   * labels that raised, too.
   */
  lemma UntrainedCannotPredict(fitTexts: seq<string>, fitLabels: seq<string>, texts: seq<string>, classify: LabelOf)
    ensures |Untrained.steps| == 3
    ensures Untrained.steps[0] == ("preprocess", Preprocessor(false))
    ensures Untrained.steps[1].0 == "vectorizer" && Untrained.steps[2] == ("classifier", Classifier(1000))
    ensures PredictPipeline(Untrained, texts, classify) == Failure(NotFitted)
    ensures PredictPipeline(FitPipeline(Untrained, fitTexts, fitLabels, true), texts, classify) == Failure(NotFitted)
  {
  }

  /** The prediction for a text depends on the text only through its cleaned form. */
  lemma PredictionsAgreeOnCleanText(p: Pipeline, a: string, b: string, classify: LabelOf)
    requires Preprocess.CleanLine(a) == Preprocess.CleanLine(b)
    ensures PredictPipeline(p, [a], classify) == PredictPipeline(p, [b], classify)
  {
  }

  /** In particular a deployed pipeline cannot tell a review from its lower-cased copy. */
  lemma PredictionIgnoresCase(p: Pipeline, text: string, classify: LabelOf)
    ensures PredictPipeline(p, [Preprocess.Lower(text)], classify) == PredictPipeline(p, [text], classify)
  {
    Preprocess.CleanLineIgnoresCase(text);
    PredictionsAgreeOnCleanText(p, Preprocess.Lower(text), text, classify);
  }

  // ------------------------------------------------------------------ training data

  /**
   * The training texts (service.py line 88): the 'text' field of each example,
   * in order; the first example without that field raises KeyError.
   */
  function TrainingTexts(examples: seq<ClassificationOutput>): (r: Result<seq<string>, ServiceError>)
    ensures r.Success? <==> forall i :: 0 <= i < |examples| ==> "text" in examples[i].input
    ensures r.Failure? ==> r.error == KeyError("text")
    ensures r.Success? ==>
      && |r.value| == |examples|
      && forall i :: 0 <= i < |examples| ==> r.value[i] == examples[i].input["text"]
  {
    if examples == [] then Success([])
    else if "text" !in examples[0].input then Failure(KeyError("text"))
    else
      match TrainingTexts(examples[1..])
      case Failure(e) => Failure(e)
      case Success(rest) => Success([examples[0].input["text"]] + rest)
  }

  /** The training labels (service.py line 89): the prediction of each example, in order. */
  function TrainingLabels(examples: seq<ClassificationOutput>): (y: seq<string>)
    ensures |y| == |examples|
    ensures forall i :: 0 <= i < |examples| ==> y[i] == examples[i].prediction
  {
    if examples == [] then [] else [examples[0].prediction] + TrainingLabels(examples[1..])
  }

  /**
   * Saving a version's pipeline leaves every other version's file as it was,
   * because distinct versions have distinct paths.
   */
  lemma SaveKeepsOtherVersions(store: map<string, Pipeline>, saved: string, other: string, p: Pipeline)
    requires saved != other
    ensures ModelPath(other) in store[ModelPath(saved) := p] <==> ModelPath(other) in store
    ensures ModelPath(other) in store ==> store[ModelPath(saved) := p][ModelPath(other)] == store[ModelPath(other)]
  {
    ModelPathInjective(saved, other);
  }

  // ------------------------------------------------------------------ the adapter

  class AclImdbSentimentAnalysisModel {
    /** The artifact directory: path of each saved file to the pipeline dumped there. */
    var store: map<string, Pipeline>
    /** self.model: the pipeline loaded by the last successful deploy. */
    var model: Option<Pipeline>

    constructor (files: map<string, Pipeline>)
      ensures store == files && model == None
    {
      store := files;
      model := None;
    }

    /** _deploy: load the file the version names; a missing file raises and nothing changes. */
    method Deploy(version: ModelVersion) returns (r: Outcome<ServiceError>)
      modifies this
      ensures store == old(store)
      ensures ModelPath(version.version) in store ==>
        r == Pass && model == Some(store[ModelPath(version.version)])
      ensures ModelPath(version.version) !in store ==>
        r == Fail(FileNotFound(ModelPath(version.version))) && model == old(model)
    {
      var path := ModelPath(version.version);
      if path in store {
        model := Some(store[path]);
        r := Pass;
      } else {
        r := Fail(FileNotFound(path));
      }
    }

    /**
     * _predict: the deployed pipeline's label for the text, as a string, with
     * the input echoed back.
     */
    method Predict(input: TextInput, classify: LabelOf) returns (r: Result<ClassificationOutput, ServiceError>)
      ensures model.None? ==> r == Failure(NotDeployed)
      ensures model.Some? && model.value.state.Unfitted? ==> r == Failure(NotFitted)
      ensures model.Some? && model.value.state.Fitted? ==>
        && r.Success?
        && r.value.input == AsFields(input)
        && r.value.prediction
           == classify(model.value.state.texts, model.value.state.labels, Preprocess.CleanLine(input.text))
    {
      if model.None? {
        return Failure(NotDeployed);
      }
      var out := PredictPipeline(model.value, [input.text], classify);
      match out
      case Failure(e) =>
        r := Failure(e);
      case Success(labels) =>
        r := Success(ClassificationOutput(labels[0], AsFields(input)));
    }

    /**
     * _train: collect the texts and labels, fit the pipeline (a raised error is
     * logged and ignored), save it under the version's path and report the
     * version without scores. A missing 'text' field raises before anything is
     * saved.
     */
    method Train(examples: seq<ClassificationOutput>, versionName: string,
                 fitRaises: (seq<string>, seq<string>) -> bool)
      returns (r: Result<ModelVersion, ServiceError>)
      modifies this
      ensures model == old(model)
      ensures r.Failure? <==> TrainingTexts(examples).Failure?
      ensures r.Failure? ==> r.error == KeyError("text") && store == old(store)
      ensures r.Success? ==>
        var x, y := TrainingTexts(examples).value, TrainingLabels(examples);
        && r.value == ModelVersion(versionName, None)
        && store == old(store)[ModelPath(versionName) := FitPipeline(Untrained, x, y, fitRaises(x, y))]
    {
      var texts: seq<string> := [];
      var i := 0;
      while i < |examples|
        invariant 0 <= i <= |examples|
        invariant |texts| == i
        invariant forall k :: 0 <= k < i ==> "text" in examples[k].input && texts[k] == examples[k].input["text"]
      {
        if "text" !in examples[i].input {
          return Failure(KeyError("text"));
        }
        texts := texts + [examples[i].input["text"]];
        i := i + 1;
      }
      assert texts == TrainingTexts(examples).value;

      var labels: seq<string> := [];
      i := 0;
      while i < |examples|
        invariant 0 <= i <= |examples|
        invariant |labels| == i
        invariant forall k :: 0 <= k < i ==> labels[k] == examples[k].prediction
      {
        labels := labels + [examples[i].prediction];
        i := i + 1;
      }
      assert labels == TrainingLabels(examples);

      var pipeline := FitPipeline(Untrained, texts, labels, fitRaises(texts, labels));
      store := store[ModelPath(versionName) := pipeline];
      r := Success(ModelVersion(versionName, None));
    }

    /**
     * Training and then deploying the version record training returned serves
     * exactly the pipeline just saved, and keeps every other version's file.
     * A pipeline whose fit raised is saved and served all the same.
     */
    method TrainAndDeploy(examples: seq<ClassificationOutput>, versionName: string,
                          fitRaises: (seq<string>, seq<string>) -> bool)
      returns (r: Result<ModelVersion, ServiceError>)
      modifies this
      ensures r.Failure? <==> TrainingTexts(examples).Failure?
      ensures r.Failure? ==> store == old(store) && model == old(model)
      ensures r.Success? ==>
        var x, y := TrainingTexts(examples).value, TrainingLabels(examples);
        && r.value == ModelVersion(versionName, None)
        && store == old(store)[ModelPath(versionName) := FitPipeline(Untrained, x, y, fitRaises(x, y))]
      ensures r.Success? ==>
        && ModelPath(r.value.version) in store
        && model == Some(store[ModelPath(r.value.version)])
      ensures r.Success? ==>
        var x, y := TrainingTexts(examples).value, TrainingLabels(examples);
        && model == Some(FitPipeline(Untrained, x, y, fitRaises(x, y)))
        && (fitRaises(x, y) ==> model == Some(Untrained))
      ensures r.Success? ==> forall v :: v != versionName && ModelPath(v) in old(store) ==>
        ModelPath(v) in store && store[ModelPath(v)] == old(store)[ModelPath(v)]
    {
      r := Train(examples, versionName, fitRaises);
      if r.Success? {
        var deployed := Deploy(r.value);
        forall v | v != versionName
          ensures ModelPath(v) != ModelPath(versionName)
        {
          ModelPathInjective(v, versionName);
        }
      }
    }
  }
}
