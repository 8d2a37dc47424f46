/** `runMagma` in server/services/magma.js: the job driver. Everything it does to the outside
    world (directories, JSON files, MAGMA processes, the database export, e-mail) is an effect
    appended to a trace; which effects fail is a property of the world the run meets. */
module MagmaRun {

  import opened Wrappers
  import opened Strings
  import opened Js
  import opened MagmaCli
  import opened MagmaPaths
  import opened MagmaStages

  /** What an error carries into the FAILED status: `{ ...error }` copies the error's own
      enumerable fields only (so not `message`), kept here beside the message. */
  datatype ErrorInfo = ErrorInfo(message: string, fields: map<string, string>)

  /** The `status` of status.json; a FAILED record also carries the error's fields. */
  datatype JobStatus = InProgress | Completed | Failed(error: map<string, string>)

  function StatusText(s: JobStatus): string
  {
    match s
    case InProgress => "IN_PROGRESS"
    case Completed => "COMPLETED"
    case Failed(_) => "FAILED"
  }

  /** `isComplete` in `waitUntilComplete`: a job is finished once its status is COMPLETED or
      FAILED. */
  predicate IsComplete(status: JsValue)
  {
    status == Str("COMPLETED") || status == Str("FAILED")
  }

  /** Of the statuses `runMagma` writes, exactly the two terminal ones are complete. */
  lemma IsCompleteIffTerminal(s: JobStatus)
    ensures IsComplete(Str(StatusText(s))) <==> !s.InProgress?
  {
  }

  datatype Table = Table(name: string, file: string)

  datatype Effect =
    | CopyInputs(from: string, to: string)
    | MakeDirs(dirs: seq<string>)
    | WriteParams(file: string, params: Params)
    | WriteStatus(file: string, id: string, status: JobStatus)
    | WriteManifest(file: string, manifest: map<PathKey, string>)
    | Invoke(exec: string, argv: seq<string>)
    | ExportTables(tables: seq<Table>, database: string)
    | Notify(recipient: JsValue, subject: string, template: string)

  /** One call in a round: awaited, started without being awaited (its failure never reaches
      the driver), or refused before anything starts (`magma` throwing on a missing
      executable, `path.parse` throwing on `undefined`). */
  datatype Action = Await(effect: Effect) | Start(effect: Effect) | Refuse(error: ErrorInfo)

  /** A round of calls started together, as `Promise.all` starts them; a single awaited
      statement is a round of one. */
  datatype Step = Step(actions: seq<Action>)

  /** What the run meets: the platform, the executables present under bin/, the CPU count
      and free memory, the utility helpers, and which effects throw (and with what). */
  datatype World = World(
    platform: string,
    installed: set<string>,
    cpus: nat,
    freeMem: nat,
    helpers: Helpers,
    fails: Effect -> Option<ErrorInfo>)

  // ---------------------------------------------------------------- executing rounds

  function ActionFailure(a: Action, w: World): Option<ErrorInfo>
  {
    match a
    case Await(e) => w.fails(e)
    case Start(_) => None
    case Refuse(err) => Some(err)
  }

  /** The error a round rejects with: its first failing call in order. */
  function StepFailure(actions: seq<Action>, w: World): (r: Option<ErrorInfo>)
    ensures r.None? <==> forall i :: 0 <= i < |actions| ==> ActionFailure(actions[i], w).None?
    ensures r.Some? ==> exists i :: 0 <= i < |actions| && ActionFailure(actions[i], w) == r
  {
    if actions == [] then None
    else match ActionFailure(actions[0], w)
      case Some(e) => Some(e)
      case None => StepFailure(actions[1..], w)
  }

  /** The effects a round starts: every call that was not refused, in order. */
  function Performed(actions: seq<Action>): (r: seq<Effect>)
    ensures |r| <= |actions|
  {
    if actions == [] then []
    else (if actions[0].Refuse? then [] else [actions[0].effect]) + Performed(actions[1..])
  }

  lemma {:induction false} PerformedAppend(a: seq<Action>, b: seq<Action>)
    ensures Performed(a + b) == Performed(a) + Performed(b)
  {
    if a == [] {
      assert a + b == b;
    } else {
      assert (a + b)[0] == a[0] && (a + b)[1..] == a[1..] + b;
      PerformedAppend(a[1..], b);
    }
  }

  lemma {:induction false} StepFailureAppend(a: seq<Action>, b: seq<Action>, w: World)
    ensures StepFailure(a + b, w) == if StepFailure(a, w).Some? then StepFailure(a, w) else StepFailure(b, w)
  {
    if a == [] {
      assert a + b == b;
    } else {
      assert (a + b)[0] == a[0] && (a + b)[1..] == a[1..] + b;
      StepFailureAppend(a[1..], b, w);
    }
  }

  datatype Execution = Execution(trace: seq<Effect>, error: Option<ErrorInfo>)

  /** A `try` block of rounds: each round runs in full, and the first round that rejects
      ends the block with its error. */
  function Execute(steps: seq<Step>, w: World): Execution
  {
    if steps == [] then Execution([], None)
    else
      var trace := Performed(steps[0].actions);
      match StepFailure(steps[0].actions, w)
      case Some(e) => Execution(trace, Some(e))
      case None =>
        var rest := Execute(steps[1..], w);
        Execution(trace + rest.trace, rest.error)
  }

  /** Two blocks in sequence: the second runs only when the first got through. */
  lemma {:induction false} ExecuteAppend(a: seq<Step>, b: seq<Step>, w: World)
    ensures Execute(a + b, w) ==
      if Execute(a, w).error.Some? then Execute(a, w)
      else Execution(Execute(a, w).trace + Execute(b, w).trace, Execute(b, w).error)
  {
    if a == [] {
      assert a + b == b;
    } else {
      assert (a + b)[0] == a[0] && (a + b)[1..] == a[1..] + b;
      ExecuteAppend(a[1..], b, w);
    }
  }

  /** Every effect of every round, in order. */
  function AllPerformed(steps: seq<Step>): seq<Effect>
  {
    if steps == [] then [] else Performed(steps[0].actions) + AllPerformed(steps[1..])
  }

  /** A block that gets through starts every effect of every round. */
  lemma {:induction false} ExecuteSucceeds(steps: seq<Step>, w: World)
    requires Execute(steps, w).error.None?
    ensures Execute(steps, w).trace == AllPerformed(steps)
  {
    if steps != [] {
      ExecuteSucceeds(steps[1..], w);
    }
  }

  /** A round in which no call is refused and none throws gets through. */
  lemma {:induction false} ExecuteClean(steps: seq<Step>, w: World)
    requires forall i, j :: 0 <= i < |steps| && 0 <= j < |steps[i].actions| ==>
      ActionFailure(steps[i].actions[j], w).None?
    ensures Execute(steps, w).error.None?
  {
    if steps != [] {
      ExecuteClean(steps[1..], w);
    }
  }

  /** Conversely, a block that gets through met no refusal and no call that threw. */
  lemma {:induction false} ExecuteCleanOnly(steps: seq<Step>, w: World)
    requires Execute(steps, w).error.None?
    ensures forall i, j :: 0 <= i < |steps| && 0 <= j < |steps[i].actions| ==>
      ActionFailure(steps[i].actions[j], w).None?
  {
    if steps != [] {
      ExecuteCleanOnly(steps[1..], w);
      forall i, j | 0 <= i < |steps| && 0 <= j < |steps[i].actions|
        ensures ActionFailure(steps[i].actions[j], w).None?
      {
        if i > 0 {
          assert steps[i] == steps[1..][i - 1];
        }
      }
    }
  }

  /** Runs one round: every call is started (or refused) in order, and the round rejects with
      its first failure. */
  method RunRound(actions: seq<Action>, w: World) returns (started: seq<Effect>, error: Option<ErrorInfo>)
    ensures started == Performed(actions) && error == StepFailure(actions, w)
  {
    started := [];
    error := None;
    var j := 0;
    while j < |actions|
      invariant 0 <= j <= |actions|
      invariant started == Performed(actions[..j])
      invariant error == StepFailure(actions[..j], w)
    {
      assert actions[..j + 1] == actions[..j] + [actions[j]];
      PerformedAppend(actions[..j], [actions[j]]);
      StepFailureAppend(actions[..j], [actions[j]], w);
      match actions[j] {
        case Await(e) =>
          started := started + [e];
          if error.None? {
            error := w.fails(e);
          }
        case Start(e) =>
          started := started + [e];
        case Refuse(err) =>
          if error.None? {
            error := Some(err);
          }
      }
      j := j + 1;
    }
    assert actions[..j] == actions;
  }

  /** Runs a block of rounds until one of them rejects. */
  method ExecuteSteps(steps: seq<Step>, w: World) returns (trace: seq<Effect>, error: Option<ErrorInfo>)
    ensures Execution(trace, error) == Execute(steps, w)
  {
    trace := [];
    error := None;
    var i := 0;
    while i < |steps| && error.None?
      invariant 0 <= i <= |steps|
      invariant error.None? ==>
        Execute(steps, w) == Execution(trace + Execute(steps[i..], w).trace, Execute(steps[i..], w).error)
      invariant error.Some? ==> Execute(steps, w) == Execution(trace, error)
    {
      assert steps[i..][0] == steps[i] && steps[i..][1..] == steps[i + 1..];
      var started;
      started, error := RunRound(steps[i].actions, w);
      trace := trace + started;
      i := i + 1;
    }
  }

  // ---------------------------------------------------------------- the plan of `runMagma`

  /** A `magma` call: the process, or the refusal when the executable is missing. */
  function MagmaAction(groups: seq<ArgGroup>, magmaType: JsValue, w: World): (a: Action)
    ensures a.Refuse? <==> ExecPath(w.platform, magmaType) !in w.installed
    ensures a.Refuse? ==> a.error == ErrorInfo("Unsupported platform: " + w.platform, map[])
    ensures !a.Refuse? ==> a == Await(Invoke(ExecPath(w.platform, magmaType), Argv(groups)))
  {
    match Magma(groups, magmaType, w.platform, w.installed)
    case Run(exec, argv) => Await(Invoke(exec, argv))
    case Unsupported(message) => Refuse(ErrorInfo(message, map[]))
  }

  /** The calls of one round, one per argument list. */
  function Calls(calls: seq<seq<ArgGroup>>, magmaType: JsValue, w: World): (r: seq<Action>)
    ensures |r| == |calls|
    ensures forall j :: 0 <= j < |calls| ==> r[j] == MagmaAction(calls[j], magmaType, w)
  {
    if calls == [] then [] else [MagmaAction(calls[0], magmaType, w)] + Calls(calls[1..], magmaType, w)
  }

  /** The processes a round of calls starts when the executable is present. */
  function Invocations(calls: seq<seq<ArgGroup>>, exec: string): (r: seq<Effect>)
  {
    seq(|calls|, i requires 0 <= i < |calls| => Invoke(exec, Argv(calls[i])))
  }

  lemma {:induction false} PerformedCalls(calls: seq<seq<ArgGroup>>, magmaType: JsValue, w: World)
    requires ExecPath(w.platform, magmaType) in w.installed
    ensures Performed(Calls(calls, magmaType, w)) == Invocations(calls, ExecPath(w.platform, magmaType))
  {
    if calls != [] {
      var exec := ExecPath(w.platform, magmaType);
      var cs := Calls(calls, magmaType, w);
      assert cs[1..] == Calls(calls[1..], magmaType, w);
      assert cs[0] == Await(Invoke(exec, Argv(calls[0])));
      assert Performed(cs) == [Invoke(exec, Argv(calls[0]))] + Performed(cs[1..]);
      PerformedCalls(calls[1..], magmaType, w);
      assert Invocations(calls, exec) == [Invoke(exec, Argv(calls[0]))] + Invocations(calls[1..], exec);
    }
  }

  function Sequential(a: Action): Step { Step([a]) }

  /** `params?.id || "default"`: the id the status records carry. */
  function JobId(params: Params): (r: string)
    ensures Truthy(params.id) && params.id.Str? ==> r == params.id.s
    ensures !Truthy(params.id) ==> r == "default"
  {
    if Truthy(params.id) then ToText(params.id) else "default"
  }

  /** The TypeError `path.parse(undefined)` throws; its one own field is `code`. */
  const ParseTypeError: ErrorInfo :=
    ErrorInfo("The \"path\" argument must be of type string. Received undefined",
              map["code" := "ERR_INVALID_ARG_TYPE"])

  function ManifestAction(p: Paths): (a: Action)
    ensures a.Refuse? <==> Manifest(p).None?
    ensures a.Refuse? ==> a.error == ParseTypeError
    ensures !a.Refuse? ==> a == Await(WriteManifest(p.manifestFile, Manifest(p).value))
  {
    match Manifest(p)
    case Some(m) => Await(WriteManifest(p.manifestFile, m))
    case None => Refuse(ParseTypeError)
  }

  /** Directories, params.json, the IN_PROGRESS status, the manifest. */
  function SetupPlan(params: Params, p: Paths): seq<Step>
  {
    [Sequential(Await(MakeDirs([p.inputFolder, p.outputFolder]))),
     Sequential(Await(WriteParams(p.paramsFile, params))),
     Sequential(Await(WriteStatus(p.statusFile, JobId(params), InProgress))),
     Sequential(ManifestAction(p))]
  }

  /** What the setup writes when all of it succeeds. */
  function SetupEffects(params: Params, p: Paths, manifest: map<PathKey, string>): seq<Effect>
  {
    [MakeDirs([p.inputFolder, p.outputFolder]), WriteParams(p.paramsFile, params),
     WriteStatus(p.statusFile, JobId(params), InProgress), WriteManifest(p.manifestFile, manifest)]
  }

  function AnnotationCalls(p: Paths): seq<seq<ArgGroup>>
  {
    [AnnotationGroups(GetAnnotationParams(p))]
  }

  function GeneAnalysisPlan(g: GeneAnalysisParams, magmaType: JsValue, w: World): seq<Step>
  {
    var rounds := GeneAnalysisRounds(g, w.platform, MaxProcesses(w.cpus, w.freeMem));
    seq(|rounds|, i requires 0 <= i < |rounds| => Step(Calls(rounds[i], magmaType, w)))
  }

  function GeneSetCalls(p: Paths, g: GeneAnalysisParams): seq<seq<seq<ArgGroup>>>
  {
    if g.genesOnly then [] else [[GeneSetGroups(GetGeneSetAnalysisParams(p))]]
  }

  /** The three MAGMA stages. */
  function ToolPlan(params: Params, p: Paths, w: World): seq<Step>
  {
    var g := GetGeneAnalysisParams(p, params);
    var geneSet := GeneSetCalls(p, g);
    [Step(Calls(AnnotationCalls(p), params.magmaType, w))]
    + GeneAnalysisPlan(g, params.magmaType, w)
    + seq(|geneSet|, i requires 0 <= i < |geneSet| => Step(Calls(geneSet[i], params.magmaType, w)))
  }

  function Tables(p: Paths): seq<Table>
  {
    [Table("gene_analysis", p.geneAnalysisFile), Table("gene_set_analysis", p.geneSetAnalysisFile)]
  }

  /** The database export (started, not awaited) and the COMPLETED status. */
  function FinishPlan(params: Params, p: Paths): seq<Step>
  {
    [Sequential(Start(ExportTables(Tables(p), p.databaseFile))),
     Sequential(Await(WriteStatus(p.statusFile, JobId(params), Completed)))]
  }

  function FinishEffects(params: Params, p: Paths): seq<Effect>
  {
    [ExportTables(Tables(p), p.databaseFile), WriteStatus(p.statusFile, JobId(params), Completed)]
  }

  function SuccessNotice(params: Params): Effect
  {
    Notify(params.email, "Analysis Complete - " + ToText(params.jobName), "templates/user-success-email.html")
  }

  function FailureNotice(params: Params): Effect
  {
    Notify(params.email, "Analysis Failed - " + ToText(params.jobName), "templates/user-failure-email.html")
  }

  /** A notice is sent only when an e-mail address was given. */
  function NoticePlan(params: Params, notice: Effect): seq<Step>
  {
    if Truthy(params.email) then [Sequential(Await(notice))] else []
  }

  /** The statements of the `try` block. */
  function TryPlan(params: Params, p: Paths, w: World): seq<Step>
  {
    SetupPlan(params, p) + ToolPlan(params, p, w) + FinishPlan(params, p) + NoticePlan(params, SuccessNotice(params))
  }

  /** The `catch` block's FAILED record for the error the `try` block threw. */
  function FailedWrite(params: Params, p: Paths, e: ErrorInfo): Effect
  {
    WriteStatus(p.statusFile, JobId(params), Failed(e.fields))
  }

  /** The statements of the `catch` block. */
  function CatchPlan(params: Params, p: Paths, e: ErrorInfo): seq<Step>
  {
    [Sequential(Await(FailedWrite(params, p, e)))] + NoticePlan(params, FailureNotice(params))
  }

  /** How a run ends: `getPaths` rejecting; the stage results; `false` after the `catch`
      block recorded the failure; or the `catch` block itself throwing. */
  datatype Outcome =
    | PathsRejected(pathError: PathError)
    | Finished(ranGeneSet: bool)
    | ReturnedFalse(error: ErrorInfo)
    | Rejected(error: ErrorInfo, catchError: ErrorInfo)

  datatype RunResult = RunResult(trace: seq<Effect>, outcome: Outcome)

  /** The copy `getPaths` starts from a previous job's inputs. */
  function CopyEffects(params: Params, env: Env): seq<Effect>
  {
    match CopiedInputs(params, env)
    case Some(dirs) => [CopyInputs(dirs.0, dirs.1)]
    case None => []
  }

  /** The meaning of `runMagma`. `env` holds the folders `getPaths` reads; the driver calls
      `getPaths(params)` without its own `env` argument, so they come from `process.env`. */
  function Run(params: Params, env: Env, w: World): RunResult
  {
    var copy := CopyEffects(params, env);
    match GetPaths(params, env, w.helpers)
    case Failure(e) => RunResult(copy, PathsRejected(e))
    case Success(p) =>
      var tried := Execute(TryPlan(params, p, w), w);
      match tried.error
      case None => RunResult(copy + tried.trace, Finished(!GetGeneAnalysisParams(p, params).genesOnly))
      case Some(e) =>
        var caught := Execute(CatchPlan(params, p, e), w);
        RunResult(copy + tried.trace + caught.trace,
                  if caught.error.None? then ReturnedFalse(e) else Rejected(e, caught.error.value))
  }

  /** `runMagma`. */
  method RunMagma(params: Params, env: Env, w: World) returns (trace: seq<Effect>, outcome: Outcome)
    ensures RunResult(trace, outcome) == Run(params, env, w)
  {
    trace := CopyEffects(params, env);
    var paths := GetPaths(params, env, w.helpers);
    if paths.Failure? {
      return trace, PathsRejected(paths.error);
    }
    var p := paths.value;
    var tried, failure := ExecuteSteps(TryPlan(params, p, w), w);
    trace := trace + tried;
    if failure.None? {
      return trace, Finished(!GetGeneAnalysisParams(p, params).genesOnly);
    }
    var caught, rethrown := ExecuteSteps(CatchPlan(params, p, failure.value), w);
    trace := trace + caught;
    if rethrown.None? {
      outcome := ReturnedFalse(failure.value);
    } else {
      outcome := Rejected(failure.value, rethrown.value);
    }
  }
}
