/** The command-line batch script (`scripts/generate_predictions.ts`): it checks
    its arguments, then classifies every image file of a folder in order,
    records every failure as an Unsure prediction without ever stopping, and
    tallies the verdicts. Its normaliser is a verbatim copy of the browser one,
    so it is `Verdicts.NormalizePrediction` here too. */
module GeneratePredictions {
  import opened Common
  import opened Verdicts
  import opened Traces

  /** `PredictionResult`. */
  datatype Prediction = Prediction(filename: string, path: string, prediction: Verdict, rawResponse: string)

  /** `summary`: how many predictions there are and how they split by verdict
      (`realCount` is the field `real`, a reserved word here). */
  datatype Summary = Summary(total: nat, aiGenerated: nat, realCount: nat, unsure: nat)

  /** The part of `path.basename` the loop relies on: what follows the last `/`. */
  function Basename(p: string): string {
    if |p| == 0 then p
    else if p[|p| - 1] == '/' then []
    else Basename(p[..|p| - 1]) + [p[|p| - 1]]
  }

  predicate NoSeparator(s: string) {
    forall i :: 0 <= i < |s| ==> s[i] != '/'
  }

  /** The base name is a suffix of the path with no separator in it, and it is
      the whole path or starts right after a separator. */
  lemma {:induction false} BasenameShape(p: string)
    ensures |Basename(p)| <= |p| && Basename(p) == p[|p| - |Basename(p)|..]
    ensures NoSeparator(Basename(p))
    ensures |Basename(p)| == |p| || p[|p| - |Basename(p)| - 1] == '/'
  {
    if |p| > 0 && p[|p| - 1] != '/' {
      var q := p[..|p| - 1];
      var c := p[|p| - 1];
      BasenameShape(q);
      var b := Basename(q);
      assert Basename(p) == b + [c];
      assert p == q + [c];
      assert p[|p| - |b| - 1..] == q[|q| - |b|..] + [c];
      assert NoSeparator(b + [c]) by {
        forall i | 0 <= i < |b| + 1 ensures (b + [c])[i] != '/' {
          if i < |b| {
            assert (b + [c])[i] == b[i];
          }
        }
      }
      if |b| < |q| {
        assert p[|p| - |b| - 2] == q[|q| - |b| - 1];
      }
    }
  }

  /** The base name of a file name joined onto a folder is the file name. */
  lemma {:induction false} BasenameOfJoin(folder: string, name: string)
    requires NoSeparator(name)
    ensures Basename(folder + "/" + name) == name
    decreases |name|
  {
    var p := folder + "/" + name;
    if |name| == 0 {
      assert p[|p| - 1] == '/';
    } else {
      var init := name[..|name| - 1];
      assert p[..|p| - 1] == folder + "/" + init;
      BasenameOfJoin(folder, init);
      assert name == init + [name[|name| - 1]];
    }
  }

  /** The prediction pushed for file `path` whose call ended with `o`. */
  function PredictionFor(path: string, o: Outcome): Prediction {
    match o
    case Success(text) => Prediction(Basename(path), path, NormalizePrediction(text), text)
    case Failure(message) => Prediction(Basename(path), path, Unsure, "ERROR: " + message)
  }

  /** What the prediction for `path` must hold when its call ended with `o`. */
  predicate Records(p: Prediction, path: string, o: Outcome) {
    && p.filename == Basename(path)
    && p.path == path
    && match o
       case Success(text) => p.prediction == NormalizePrediction(text) && p.rawResponse == text
       case Failure(message) => p.prediction == Unsure && p.rawResponse == "ERROR: " + message
  }

  /** The loop's output so far. */
  datatype Batch = Batch(predictions: seq<Prediction>, events: seq<Event>)

  /** The `for` loop of `main` from file `i` on, with the capability replaced by
      `answers`. Every file is processed; nothing aborts. */
  function PredictFrom(files: seq<string>, answers: seq<Outcome>, i: nat): (b: Batch)
    requires |answers| == |files| && i <= |files|
    ensures |b.predictions| == |files| - i
    ensures forall k :: 0 <= k < |files| - i ==> Records(b.predictions[k], files[i + k], answers[i + k])
    ensures b.events == Steps(answers, i, |files|)
    decreases |files| - i
  {
    if i == |files| then Batch([], [])
    else
      var rest := PredictFrom(files, answers, i + 1);
      var b := Batch([PredictionFor(files[i], answers[i])] + rest.predictions,
                     StepEvents(i, |files|, answers[i]) + rest.events);
      assert forall k :: 1 <= k < |files| - i ==> b.predictions[k] == rest.predictions[k - 1];
      b
  }

  /** `predictions.filter(p => p.prediction === v).length`. */
  function CountVerdict(ps: seq<Prediction>, v: Verdict): (c: nat)
    ensures c <= |ps|
  {
    if |ps| == 0 then 0 else (if ps[0].prediction == v then 1 else 0) + CountVerdict(ps[1..], v)
  }

  /** Every prediction carries exactly one of the three verdicts. */
  lemma {:induction false} VerdictsPartition(ps: seq<Prediction>)
    ensures CountVerdict(ps, Yes) + CountVerdict(ps, No) + CountVerdict(ps, Unsure) == |ps|
  {
    if |ps| > 0 {
      VerdictsPartition(ps[1..]);
    }
  }

  /** The `summary` block. */
  function Summarize(ps: seq<Prediction>): (s: Summary)
    ensures s.total == |ps| == s.aiGenerated + s.realCount + s.unsure
  {
    VerdictsPartition(ps);
    Summary(|ps|, CountVerdict(ps, Yes), CountVerdict(ps, No), CountVerdict(ps, Unsure))
  }

  /** The result of a run that passed its checks. */
  datatype BatchResult = BatchResult(predictions: seq<Prediction>, summary: Summary, events: seq<Event>)

  /** The loop and the summary over a folder's image files. */
  function RunBatch(files: seq<string>, answers: seq<Outcome>): (r: BatchResult)
    requires |answers| == |files|
    ensures |r.predictions| == |files| == r.summary.total
    ensures forall k :: 0 <= k < |files| ==> Records(r.predictions[k], files[k], answers[k])
    ensures r.summary.total == r.summary.aiGenerated + r.summary.realCount + r.summary.unsure
    ensures r.summary == Summarize(r.predictions)
    ensures r.events == Steps(answers, 0, |files|)
  {
    var b := PredictFrom(files, answers, 0);
    BatchResult(b.predictions, Summarize(b.predictions), b.events)
  }

  /** The accepted values of the prompt-type argument. */
  datatype PromptType = Basic | Detailed

  /** What the script looks up outside its arguments, for the folder it was given:
      whether the folder exists and is a directory, the environment's API key,
      and the image files the folder holds. */
  datatype Environment = Environment(
    folderExists: bool,
    isDirectory: bool,
    apiKey: Option<string>,
    imageFiles: seq<string>)

  /** The checks of `main`, in the order it makes them. */
  datatype UsageError = MissingArguments | FolderNotFound | NotADirectory | BadPromptType | MissingApiKey | NoImageFiles

  const CheckOrder: seq<UsageError> :=
    [MissingArguments, FolderNotFound, NotADirectory, BadPromptType, MissingApiKey, NoImageFiles]

  /** The parsed arguments of an accepted invocation. `delayText` is the string
      handed to `parseInt`. */
  datatype Config = Config(folderPath: string, experimentName: string, promptType: PromptType, delayText: string)

  datatype Checked = Accepted(config: Config) | Rejected(error: UsageError)

  /** The check `e` passes. A check is only consulted when the earlier ones passed,
      so it may rely on there being three arguments. */
  predicate Passes(e: UsageError, args: seq<string>, env: Environment) {
    match e
    case MissingArguments => |args| >= 3
    case FolderNotFound => env.folderExists
    case NotADirectory => env.isDirectory
    case BadPromptType => |args| >= 3 && (args[2] == "basic" || args[2] == "detailed")
    case MissingApiKey => env.apiKey.Some? && env.apiKey.value != ""
    case NoImageFiles => |env.imageFiles| > 0
  }

  /** The argument and environment checks of `main`, up to the first `process.exit(1)`. */
  function Validate(args: seq<string>, env: Environment): (r: Checked)
    ensures r.Accepted? <==> forall j :: 0 <= j < |CheckOrder| ==> Passes(CheckOrder[j], args, env)
    ensures r.Rejected? ==>
      exists j :: 0 <= j < |CheckOrder| && CheckOrder[j] == r.error && !Passes(r.error, args, env)
        && forall m :: 0 <= m < j ==> Passes(CheckOrder[m], args, env)
    ensures r.Accepted? ==> |args| >= 3
    ensures r.Accepted? ==> r.config.folderPath == args[0] && r.config.experimentName == args[1]
    ensures r.Accepted? ==> (r.config.promptType == Basic <==> args[2] == "basic")
    ensures r.Accepted? ==> r.config.delayText == (if |args| > 3 && args[3] != "" then args[3] else "1000")
  {
    if |args| < 3 then
      assert CheckOrder[0] == MissingArguments;
      Rejected(MissingArguments)
    else if !env.folderExists then
      assert CheckOrder[1] == FolderNotFound;
      Rejected(FolderNotFound)
    else if !env.isDirectory then
      assert CheckOrder[2] == NotADirectory;
      Rejected(NotADirectory)
    else if args[2] != "basic" && args[2] != "detailed" then
      assert CheckOrder[3] == BadPromptType;
      Rejected(BadPromptType)
    else if env.apiKey.None? || env.apiKey.value == "" then
      assert CheckOrder[4] == MissingApiKey;
      Rejected(MissingApiKey)
    else if |env.imageFiles| == 0 then
      assert CheckOrder[5] == NoImageFiles;
      Rejected(NoImageFiles)
    else
      var delayText := if |args| > 3 && args[3] != "" then args[3] else "1000";
      Accepted(Config(args[0], args[1], if args[2] == "basic" then Basic else Detailed, delayText))
  }

  /** An invocation either stops at a failed check, having classified nothing,
      or runs the batch over every image file of the folder. */
  datatype Invocation = Stopped(error: UsageError) | Finished(config: Config, result: BatchResult)

  /** `main`, given its arguments, its environment and the capability's answers
      for the folder's image files. */
  function Main(args: seq<string>, env: Environment, answers: seq<Outcome>): (r: Invocation)
    requires |answers| == |env.imageFiles|
    ensures r.Stopped? <==> Validate(args, env).Rejected?
    ensures r.Stopped? ==> r.error == Validate(args, env).error
    ensures r.Finished? ==> Validate(args, env).Accepted? && r.config == Validate(args, env).config
    ensures r.Finished? ==> |r.result.predictions| == |env.imageFiles| > 0
    ensures r.Finished? ==> forall k :: 0 <= k < |env.imageFiles| ==>
      Records(r.result.predictions[k], env.imageFiles[k], answers[k])
    ensures r.Finished? ==> r.result.summary == Summarize(r.result.predictions)
    ensures r.Finished? ==> r.result.events == Steps(answers, 0, |env.imageFiles|)
    ensures r.Finished? ==> CallIndices(r.result.events) == Range(0, |env.imageFiles|)
  {
    match Validate(args, env)
    case Rejected(e) => Stopped(e)
    case Accepted(config) =>
      StepsShape(answers, 0, |env.imageFiles|);
      Finished(config, RunBatch(env.imageFiles, answers))
  }
}
