# ACL IMDB sentiment service — a Dafny model

This project models the core of the ACL IMDB sentiment-analysis service,
`acl_imdb/app/service.py`. The model covers three things:

- **The text clean-up.** The two regular expressions `REPLACE_NO_SPACE` and
  `REPLACE_WITH_SPACE`, and the `TransformerPreprocess` step that applies them
  to every review line (`Preprocess` in `preprocess.dfy`).
  - `Strip` models `str.strip` over Python's whitespace set.
  - `Lower` models `str.lower`, for ASCII letters only.
  - `DeleteNoSpace` models `REPLACE_NO_SPACE.sub("", …)`. It deletes every
    `. ; : ! ' ? , " ( ) [ ]`.
  - `ReplaceWithSpace` models `REPLACE_WITH_SPACE.sub(" ", …)`. It is a
    leftmost scan that turns a double break tag
    `<br` whitespace* `/><br` whitespace* `/>` into one space. It also turns
    every `-` and every other `/` into a space.
  - `CleanLine` composes the four. `Transform` applies it line by line.
- **The sklearn pipeline the service builds.** The preprocessing step is
  followed by a bag-of-words vectorizer and a logistic regression with
  `max_iter=1000` (`Service.Untrained`). The numeric part is opaque:
  - a fitted pipeline records the cleaned texts and the labels it was fitted on;
  - a caller-supplied `LabelOf` function gives the label a fitted classifier
    predicts for a cleaned text;
  - predicting with an unfitted pipeline raises.
- **The adapter class `AclImdbSentimentAnalysisModel`**
  (`Service.AclImdbSentimentAnalysisModel`). Its state is two fields:
  - the artifact directory, a map from file path to the saved pipeline;
  - `self.model`, the pipeline loaded by the last successful deploy.

  The class has four methods:
  - `_deploy` loads `/app/models/model_acl_imdb_lr_<version>.joblib`.
  - `_predict` runs the deployed pipeline on one text and echoes the input back.
  - `_train` fits a fresh pipeline on the examples' texts and labels. Any
    exception the fit raises is logged and ignored. It then saves the pipeline
    under the path of the new version name and returns the version without
    scores.
  - `TrainAndDeploy` joins the two operations. Deploying the version that
    training returned serves exactly the pipeline training saved, and every
    other version's file is kept.

Two details of the clean-up, as the code has them:

- **Order of strip and lower.** Each line is stripped first and lower-cased
  afterwards. `Preprocess.StripLower` proves that the order makes no
  difference in this model.
- **Which break tags are replaced.** The first alternative of
  `REPLACE_WITH_SPACE` is `<br\s*/><br\s*/>`. It accepts any whitespace,
  including none, before each `/>` (`<br/><br/>`, `<br  /><br\t/>`). A single
  `<br />` is not replaced as a unit: only its slash becomes a space, so
  `<br  >` stays in the text (`Preprocess.LoneBreakTag`).
- **Cleaning is not idempotent.** Stripping runs before the punctuation is
  deleted and before `-` and `/` become spaces, so a cleaned line can begin
  or end with a space: `x .` cleans to `x ` and `-x` to ` x`, and cleaning
  either result again removes that space
  (`Preprocess.CleanLineTrailingPunctuation`, `Preprocess.CleanLineLeadingDash`).

## Model

| member | source | states |
|---|---|---|
| Preprocess.SpaceCharsListed | acl_imdb/app/service.py:29 | the whitespace predicate `IsSpace` (used by `strip()` at line 46 and by `\s` at line 29) holds of exactly the 29 code points Python treats as whitespace, listed one by one |
| Preprocess.IsNoSpaceChar | acl_imdb/app/service.py:28 | a character belongs to the class of `REPLACE_NO_SPACE` exactly when it is one of `. ; : ! ' ? , " ( ) [ ]` |
| Preprocess.LowerChar | acl_imdb/app/service.py:46 | `lower()` on one character: an ASCII capital moves to its lower-case letter, every other character is kept, and the result is never a capital |
| Preprocess.StripUnique | acl_imdb/app/service.py:46 | `line.strip()`: for any slice of the line with only whitespace outside it and non-whitespace at both of its ends, Strip returns exactly that slice |
| Preprocess.Strip | acl_imdb/app/service.py:46 | the stripped line has no whitespace at either end |
| Preprocess.StripShortens | acl_imdb/app/service.py:46 | strip leaves a line unchanged exactly when it has no whitespace at either end, and otherwise makes it strictly shorter |
| Preprocess.Lower | acl_imdb/app/service.py:46 | `lower()` keeps the length, maps each character to its lower-case form, and leaves no upper-case letter |
| Preprocess.StripLower | acl_imdb/app/service.py:46 | stripping and lower-casing commute, so strip-then-lower equals lower-then-strip |
| Preprocess.DeleteNoSpace | acl_imdb/app/service.py:28 | `REPLACE_NO_SPACE.sub("", s)`: the result contains none of the twelve punctuation characters, keeps only characters of s, is no longer than s, and is s itself when s contains none of them |
| Preprocess.DeleteNoSpaceLength | acl_imdb/app/service.py:28 | the result is shorter than s by exactly the number of punctuation characters in s |
| Preprocess.DeleteNoSpaceConcat | acl_imdb/app/service.py:28 | deleting the punctuation of a concatenation concatenates the deletions of the parts |
| Preprocess.SpaceRun | acl_imdb/app/service.py:29 | the greedy `\s*`: the length of the maximal whitespace prefix |
| Preprocess.BreakTag | acl_imdb/app/service.py:29 | a match of `<br\s*/>` at the start of s starts with `<br`, ends with `/>`, holds only whitespace in between, and has length at least 5 |
| Preprocess.DoubleBreak | acl_imdb/app/service.py:29 | a match of the double-break alternative starts at `<` and has length at least 10, and s then contains a `/` |
| Preprocess.DoubleBreakIsMarker | acl_imdb/app/service.py:29 | every match of the double-break alternative is `<br` w1 `/><br` w2 `/>` for some whitespace runs w1 and w2 |
| Preprocess.DoubleBreakOfMarker | acl_imdb/app/service.py:29 | conversely, the alternative matches `<br` w1 `/><br` w2 `/>` in full, for all whitespace runs w1 and w2, whatever follows |
| Preprocess.ReplaceWithSpace | acl_imdb/app/service.py:29 | `REPLACE_WITH_SPACE.sub(" ", s)`: no `-` or `/` is left, each character is a space or comes from s, the result is no longer than s, and s is unchanged when it has neither character |
| Preprocess.ReplaceBreakMarker | acl_imdb/app/service.py:29 | a double break tag `<br` w1 `/><br` w2 `/>` (w1, w2 whitespace) at the scan position becomes one space, and the scan continues after it |
| Preprocess.LoneBreakTag | acl_imdb/app/service.py:29 | a single `<br` w `/>` not followed by a second tag is not replaced as a unit: only its slash becomes a space |
| Preprocess.ReplaceWithSpaceConcat | acl_imdb/app/service.py:29 | a prefix without `<` is rewritten character by character, independently of what follows it |
| Preprocess.CleanLine | acl_imdb/app/service.py:46-47 | one element of transform's output: no cleaned line contains a character of `REPLACE_NO_SPACE`, a `-`, a `/` or an upper-case letter, and it is never longer than the stripped input line |
| Preprocess.CleanLineFixpoint | acl_imdb/app/service.py:46-47 | cleaning leaves a line unchanged exactly when the line is already clean: stripped, lower-case, and free of the punctuation, `-` and `/` |
| Preprocess.CleanLineTrailingPunctuation | acl_imdb/app/service.py:46-47 | for every non-empty clean line a, `a .` cleans to `a ` and `a ` cleans to `a`, so cleaning a cleaned line can change it again |
| Preprocess.CleanLineLeadingDash | acl_imdb/app/service.py:46-47 | for every clean line a, `-a` cleans to ` a` (a leading space left after the strip) and ` a` cleans to `a` |
| Preprocess.CleanLineIgnoresCase | acl_imdb/app/service.py:46-47 | a line and its lower-cased copy clean to the same text |
| Preprocess.FirstPass | acl_imdb/app/service.py:46 | the first comprehension keeps the list length and maps line i to the punctuation-free, lower-cased, stripped line i |
| Preprocess.SecondPass | acl_imdb/app/service.py:47 | the second comprehension keeps the list length and rewrites line i with `REPLACE_WITH_SPACE` |
| Preprocess.Transform | acl_imdb/app/service.py:43-49 | `transform(X)` returns a list of the same length whose element i is the cleaned line i, depending on that line alone |
| Preprocess.TransformerPreprocess.constructor | acl_imdb/app/service.py:33-34 | the constructor records the verbose flag |
| Preprocess.TransformerPreprocess.Fit | acl_imdb/app/service.py:38-41 | `fit(X, y)` learns nothing and returns the transformer itself |
| Service.ModelPath | acl_imdb/app/service.py:59-60 | the artifact path of a version lies in `/app/models/`, ends in `.joblib`, and carries the version right after the fixed name prefix |
| Service.VersionOfPath | acl_imdb/app/service.py:59-60 | a path read as an artifact path gives back a version whose model path is that path |
| Service.VersionOfModelPath | acl_imdb/app/service.py:59-60 | the version name is recovered from `/app/models/model_acl_imdb_lr_<version>.joblib` |
| Service.ModelPathInjective | acl_imdb/app/service.py:59-60 | distinct versions are saved in and loaded from distinct files |
| Service.AsFields | acl_imdb/app/service.py:75 | the echoed input carries the request's text under the key `text` |
| Service.UntrainedCannotPredict | acl_imdb/app/service.py:82-86 | the pipeline `_train` builds has the steps preprocess (not verbose), vectorizer and classifier (max_iter 1000), in that order; before any fit, and after a fit on any texts and labels that raised, every prediction with it raises NotFitted |
| Service.FitPipeline | acl_imdb/app/service.py:91-94 | fitting keeps the steps; a fit that raised leaves the pipeline as it was; otherwise the pipeline is fitted on the labels and on the cleaned texts, one per input text |
| Service.PredictPipeline | acl_imdb/app/service.py:69 | `self.model.predict(X)`: an unfitted pipeline raises NotFitted; a fitted one returns one label per text, the classifier's label for the cleaned text |
| Service.PredictionsAgreeOnCleanText | acl_imdb/app/service.py:69 | two texts with the same cleaned form receive the same prediction |
| Service.PredictionIgnoresCase | acl_imdb/app/service.py:69 | a review and its lower-cased copy receive the same prediction |
| Service.TrainingTexts | acl_imdb/app/service.py:88 | `X` is each example's `text` field, in order; it raises KeyError('text') exactly when some example lacks that field |
| Service.TrainingLabels | acl_imdb/app/service.py:89 | `y` is each example's prediction, in order |
| Service.SaveKeepsOtherVersions | acl_imdb/app/service.py:97 | saving a version's file leaves every other version's file as it was |
| Service.AclImdbSentimentAnalysisModel.constructor | acl_imdb/app/service.py:52-56 | the adapter starts on the given artifact directory with no deployed model |
| Service.AclImdbSentimentAnalysisModel.Deploy | acl_imdb/app/service.py:58-63 | deploying loads the file the version names into the serving slot; a missing file raises FileNotFound and changes nothing; the directory is never changed |
| Service.AclImdbSentimentAnalysisModel.Predict | acl_imdb/app/service.py:66-75 | predicting before any deploy raises; predicting with an unfitted pipeline raises NotFitted; otherwise the output is the classifier's label for the cleaned text, with the input echoed |
| Service.AclImdbSentimentAnalysisModel.Train | acl_imdb/app/service.py:78-105 | a missing `text` field raises KeyError before anything is saved; otherwise the pipeline, fitted on X and y (or left unfitted if the fit raised), is saved under the version's path, only that file changes, the deployed model is untouched, and the result is the version with no scores |
| Service.AclImdbSentimentAnalysisModel.TrainAndDeploy | acl_imdb/app/service.py:58-105 | the new store is the old one with only the version's path set to the pipeline fitted on X and y (unfitted when the fit raised); deploying the version training returned serves exactly that pipeline, and every other version's file is kept |

## Left out

- Numerics of the vectorizer and the logistic regression: the vocabulary, the
  weights and the decision function are not modelled. A fitted classifier is a
  caller-supplied function of its training data and a cleaned text, and whether
  fitting raises is a caller-supplied predicate.
- Service.FitPipeline: a fit that raises part-way leaves the pipeline unfitted
  as a whole. A pipeline whose earlier steps were fitted before a later step
  raised is not distinguished.
- joblib `dump` and `load` are modelled as storing and reading a map from path
  to pipeline. Serialization, disk errors and files written by other processes
  are not modelled; a missing file is the only load error.
- `datetime.now().isoformat()`: the clock is not modelled. The version name is a
  parameter of `Train`, and two runs with the same name overwrite the same file.
- Preprocess.Lower: folds only the ASCII letters A-Z. Unicode case mappings of
  `str.lower` (accented letters, characters whose lower-case form is longer)
  are not modelled.
- Preprocess.LowerChar: keeps every character outside A-Z, for the same reason;
  `str.lower` would also fold non-ASCII capitals.
- Preprocess.IsSpace is Python's fixed list of whitespace code points for
  `str.strip` and for `\s` on `str` patterns. No Unicode database is consulted.
- The `verbose` messages printed by `TransformerPreprocess` and all logging.
  The constructor's default `verbose=True` is not modelled: Dafny has no
  default arguments, so the flag is always passed, and the pipeline built by
  `_train` passes `False` as the code does.
  `transform`'s unused `y` argument is not modelled.
- `str(prediction)`: the training labels are strings, so the predicted label is
  already a string and the conversion is the identity.
- Echoing the prediction input back is modelled as a map holding its `text`
  field. Validation by the output record's schema is not modelled.
- The command-line entry point (`serve_forever`, `train_from_file`, lines
  108-118). The service framework that drives `_deploy`, `_predict` and
  `_train` is not part of this model: job queueing, the version registry, the
  HTTP API and authentication.
- Concurrency between training, deploying and predicting is not modelled. Each
  method runs to completion.
